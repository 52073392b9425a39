# Laser odometry: a verified model of the scan-to-scan control logic

This project models the discrete control logic of the LOAM laser odometry
engine (`loam_velodyne/LaserOdometry.cpp`) in Dafny and proves properties of it.
The engine receives six input streams per lidar sweep: sharp, less sharp, flat
and less flat feature clouds, the full-resolution cloud and an imu transform.
It waits until all six are fresh and aligned in time. It then matches the sharp
and flat points of the current sweep against the less sharp and less flat
clouds of the previous sweep. It iterates a Gauss-Newton solve that is
protected against degenerate directions. Finally it deskews the current clouds
to the sweep end and swaps them in as the next reference.

Modules, leaves first:

- `Numerics` (`numerics.dfy`): truncation `int(x)`, its fractional part, the
  square-root comparison, and 6x6 matrices with the associativity lemma.
- `Points` (`points.dfy`): points whose intensity packs ring and in-sweep
  time, poses, and the per-point deskew of `transformToStart` and
  `transformToEnd`. The rotations `rotateZXY`/`rotateYXZ` are given functions.
- `Correspondence` (`correspondence.dfy`): the ring-constrained forward and
  backward scans of the edge and plane searches, as methods proved against
  the predicates `EdgeCorrespondence` and `PlaneCorrespondence`.
- `Residuals` (`residuals.dfy`): the iteration-dependent weight, the
  acceptance test `s > 0.1 && d != 0`, and the pushed coefficient.
- `Solver` (`solver.dfy`): the degeneracy mask of iteration 0, the projection
  `matP = V^-1 * V2`, the pose update with its non-finite reset, and the
  convergence test.
- `Odometry` (`odometry.dfy`): the class `LaserOdometry`. It holds the six
  flags and stamps, the seven cloud buffers (arrays), the index vectors and
  the residual clouds (sequences) and the poses. Its methods are `HasNewData`,
  `Reset`, `Process` (gate, bootstrap, optimisation loop, hand-over),
  `TransformToEnd` and `GenerateRegisteredCloud`. The optimisation loop is
  proved against a ghost trace of iterations. `TraceRecords` states what each
  iteration must have done: search every fifth iteration, select, skip or
  solve, project, update.

Floats are modelled as `real`. `Num` (finite or not) is used only where the
engine tests finiteness: the solution vector `matX` and the plane weight. The
six stream stamps are `Time` values, which `common.h` declares as `int`
(line 47); they start at 0 (lines 57-62). The code compares every stamp with
the less flat stamp only, with a tolerance of 0.005 (lines 278-282). On
integer stamps that test is an equality test (`AlignedMeansEqual`), so a ready
engine holds six equal stamps.

## Model

| member | source | states |
|---|---|---|
| `Numerics.Trunc` | loam_velodyne/LaserOdometry.cpp:108 | `int(x)` truncates toward zero: for x >= 0 the result is the integer part (floor), for x < 0 the ceiling |
| `Numerics.Frac` | loam_velodyne/LaserOdometry.cpp:86 | `x - int(x)` lies in [0, 1) for non-negative x and rebuilds x with the integer part |
| `Numerics.TruncOfInteger` | loam_velodyne/LaserOdometry.cpp:108-114 | truncating an integer-valued float gives that integer back, so a rewritten intensity decodes to its ring |
| `Numerics.SqrtBelowIsSqrtLess` | loam_velodyne/LaserOdometry.cpp:729-736 | comparing a sum of squares with t*t agrees with comparing its square root with t |
| `Numerics.MatMulApplies` | loam_velodyne/LaserOdometry.cpp:705-711 | applying `matP = V^-1 * V2` to a vector equals applying V2 and then V^-1 |
| `Points.RingTimeRoundTrip` | loam_velodyne/LaserOdometry.cpp:86 | an intensity `ring + t/10` with t in [0, 10) decodes to that ring and that time |
| `Points.IntensityDecodes` | loam_velodyne/LaserOdometry.cpp:86 | every non-negative intensity is its ring plus a tenth of its time, with the time in [0, 10) |
| `Points.ToStart` | loam_velodyne/LaserOdometry.cpp:83-97 | transformToStart keeps the intensity unchanged |
| `Points.ToEnd` | loam_velodyne/LaserOdometry.cpp:106-135 | one transformToEnd step leaves intensity equal to the point's ring |
| `Points.ToEndKeepsRing` | loam_velodyne/LaserOdometry.cpp:108-114 | a point deskewed to the end keeps its ring and has relative time 0 |
| `Points.ToStartAtRest` | loam_velodyne/LaserOdometry.cpp:83-97 | with a zero transform and rotations that are the identity at angle 0, transformToStart is the identity |
| `Points.ToStartThenEndAtRest` | loam_velodyne/LaserOdometry.cpp:83-136 | with no motion and no imu motion, deskewing to the start and then to the end restores the position, and the intensity becomes the ring |
| `Points.CloudToEndRingsOnly` | loam_velodyne/LaserOdometry.cpp:101-138 | after transformToEnd every point's intensity is its integer ring, the same ring as before, and its relative time is 0 |
| `Correspondence.EdgeSearch` | loam_velodyne/LaserOdometry.cpp:352-389 | with nearest squared distance >= 25 both indices are -1. Otherwise ind1 is the nearest point and ind2 is -1 or the closest (< 25) point on a strictly higher ring reached forward or a strictly lower ring reached backward before the 2.5-ring break. No such candidate is strictly closer. Ties go to the first forward candidate, then to the backward candidate nearest to ind1 (only strictly closer points replace a selection) |
| `Correspondence.PlaneSearch` | loam_velodyne/LaserOdometry.cpp:454-502 | same cutoff. ind2 is the closest candidate on a ring not above the nearest ring (forward) or not below it (backward). ind3 is the closest on a strictly higher ring (forward) or strictly lower ring (backward). Each is -1 when no candidate is closer than 25. Ties are settled as in the edge search |
| `Correspondence.PlaneForward` | loam_velodyne/LaserOdometry.cpp:460-478 | the forward scan leaves the closest second and third candidates among those it reaches before the break, the first of them when several are equally close |
| `Correspondence.PlaneBackward` | loam_velodyne/LaserOdometry.cpp:479-497 | the backward scan, continuing from the forward selections, leaves the closest candidates of all reached positions; a backward candidate replaces a selection only when strictly closer, so of backward ties the one nearest to ind1 is kept |
| `Correspondence.ForwardStep` | loam_velodyne/LaserOdometry.cpp:362-371 | keeping forward position j exactly when it passes its role's ring test and is strictly closer keeps the first of the closest candidates seen so far |
| `Correspondence.ForwardDone` | loam_velodyne/LaserOdometry.cpp:358-361 | once the forward scan has stopped, its selection is the closest forward candidate, the first among equals |
| `Correspondence.BackwardStep` | loam_velodyne/LaserOdometry.cpp:483-496 | keeping position b exactly when it passes its role's ring test and is strictly closer keeps the selection the closest one, with ties settled as the scans settle them |
| `Correspondence.SelectionUnique` | loam_velodyne/LaserOdometry.cpp:362-383 | the closest-candidate predicate with the scans' tie rule allows exactly one selection per role |
| `Correspondence.FirstOfForwardTiesKept` | loam_velodyne/LaserOdometry.cpp:362-371 | with two equally close ring-1 points at positions 1 and 2 after a nearest point on ring 0, the edge search selects position 1 |
| `Correspondence.EdgeSecondOnNeighbourRing` | loam_velodyne/LaserOdometry.cpp:356-384 | an edge's second point is a different index on a different ring: 1 or 2 rings above when found forward, 1 or 2 below when found backward, and closer than 25 |
| `Correspondence.PlaneRingsSeparate` | loam_velodyne/LaserOdometry.cpp:458-497 | a plane's third point never shares the nearest ring: forward it is 1 or 2 rings above, backward 1 or 2 rings below. Its second point is not above the nearest ring forward and not below it backward. When both are selected, the three indices are distinct |
| `Correspondence.NoneSelectedIffNoneClose` | loam_velodyne/LaserOdometry.cpp:362-383 | a selection is -1 exactly when no candidate of its role is closer than the cutoff 25 |
| `Correspondence.OverrunExactly` | loam_velodyne/LaserOdometry.cpp:358-360 | the forward loop as written reads past the reference cloud exactly when the current frame has more points than the reference cloud and no point after the nearest leaves the ring band |
| `Correspondence.ForwardScanOverrun` | loam_velodyne/LaserOdometry.cpp:325-360 | eleven reference corners on one ring (enough to pass the test of line 325), the nearest at position 10, and twelve sharp points make the forward loop read reference position 11 |
| `Correspondence.CorrectedScanAgrees` | loam_velodyne/LaserOdometry.cpp:358-371 | wherever the as-written loop stays inside the reference cloud, the modelled scan visits exactly the positions it visits |
| `Residuals.EdgeEntry` | loam_velodyne/LaserOdometry.cpp:432-445 | an edge contributes at most one entry: before iteration 5 exactly when d != 0, from then on exactly when 0 < abs(d) < 0.5. A kept entry is the point with `s * (la, lb, lc, ld2)`, its weight lies in (0.1, 1] and its weighted distance is non-zero |
| `Residuals.PlaneEntry` | loam_velodyne/LaserOdometry.cpp:532-545 | a plane contributes at most one entry: before iteration 5 exactly when d != 0, from then on (for the non-negative square root of the range) exactly when 0 < abs(d) < sqrt(range)/2. A kept entry is the point with `s * (pa, pb, pc, pd2)`, its weight lies in (0.1, 1] and its weighted distance is non-zero |
| `Residuals.EarlyIterationsKeepNonZero` | loam_velodyne/LaserOdometry.cpp:432-442 | before iteration 5 the weight is 1 and a residual is kept exactly when its distance is non-zero, for edges and planes |
| `Residuals.LateEdgeAcceptance` | loam_velodyne/LaserOdometry.cpp:432-442 | from iteration 5 an edge residual is kept exactly when 0 < abs(d) < 0.5 |
| `Residuals.LatePlaneAcceptance` | loam_velodyne/LaserOdometry.cpp:532-542 | from iteration 5 a plane residual is kept exactly when 0 < abs(d) < sqrt(range)/2; a zero range keeps nothing |
| `Residuals.KeptWeightInRange` | loam_velodyne/LaserOdometry.cpp:432-442 | a kept residual's weight lies in (0.1, 1] |
| `Residuals.KeptCoefficientNonZero` | loam_velodyne/LaserOdometry.cpp:437-442 | a kept residual stores a non-zero weighted distance |
| `Residuals.OrisAt` | loam_velodyne/LaserOdometry.cpp:443-444 | entry i of `_laserCloudOri` and `_coeffSel` is the point and the coefficient of the i-th kept residual |
| `Residuals.OrisAppend` | loam_velodyne/LaserOdometry.cpp:443-444 | pushing two runs of entries pushes their points and coefficients in order |
| `Solver.ZeroWeakRows` | loam_velodyne/LaserOdometry.cpp:693-704 | the mask loop zeroes row i of matV2 exactly when every eigenvalue from i to 5 is below 10, keeps the other rows, and sets isDegenerate iff some row was zeroed (iff eigenvalue 5 < 10) |
| `Solver.MaskIsSuffix` | loam_velodyne/LaserOdometry.cpp:695-703 | the zeroed rows form a block ending at row 5: the loop stops at the first eigenvalue >= 10 |
| `Solver.AscendingMaskAllOrNothing` | loam_velodyne/LaserOdometry.cpp:687-704 | with ascending eigenvalues, the order `SelfAdjointEigenSolver` returns them in, the mask zeroes all six rows when the largest eigenvalue is below 10 and none otherwise |
| `Solver.WeakSmallestEigenvalueNotMasked` | loam_velodyne/LaserOdometry.cpp:687-704 | eigenvalues (1, 20, 30, 40, 50, 60) leave matV2 equal to matV: the weak direction of eigenvalue 1 is not removed |
| `Solver.MaskedDirectionsVanish` | loam_velodyne/LaserOdometry.cpp:705-711 | with `V * V^-1 = I`, coordinate i of `matV * (matP * x)` is 0 for every masked row i and equals coordinate i of `matV * x` for the others |
| `Solver.ProjectKeepsFiniteness` | loam_velodyne/LaserOdometry.cpp:708-712 | a finite solution is projected to `matP` times it; a non-finite one stays non-finite |
| `Solver.ApplyUpdateUndone` | loam_velodyne/LaserOdometry.cpp:714-719 | a finite update is undone by its negation: the pose moves by exactly the solution vector |
| `Solver.NonFiniteComponentResets` | loam_velodyne/LaserOdometry.cpp:721-727 | a non-finite solution component resets that pose component to 0; the finite ones are still added |
| `Solver.ConvergedBoundsEachComponent` | loam_velodyne/LaserOdometry.cpp:729-736 | a converged step moves every angle by less than deltaRAbort degrees and every coordinate by less than deltaTAbort/100 |
| `Solver.SmallStepConverges` | loam_velodyne/LaserOdometry.cpp:729-736 | a finite step whose components are all below half the thresholds converges |
| `Odometry.AlignedMeansEqual` | loam_velodyne/LaserOdometry.cpp:278-282 | two integer stamps pass `fabs(a - b) < 0.005` exactly when they are equal |
| `Odometry.EveryCycleEmitsBelowRatioTwo` | loam_velodyne/LaserOdometry.cpp:798 | with ioRatio < 2 every cycle emits the registered cloud |
| `Odometry.EmitsPeriodic` | loam_velodyne/LaserOdometry.cpp:798 | emission is periodic in the frame count with period ioRatio |
| `Odometry.EmitsAtMostOncePerWindow` | loam_velodyne/LaserOdometry.cpp:798 | two frame counts less than ioRatio apart do not both emit |
| `Odometry.EmitsOncePerWindow` | loam_velodyne/LaserOdometry.cpp:798 | from ioRatio 2 on, every window of ioRatio consecutive frame counts holds exactly one emitting count |
| `Odometry.Resize` | loam_velodyne/LaserOdometry.cpp:334-338 | `resize(n)` gives length n, keeps the first entries and pads with zeros |
| `Odometry.EdgeSelectionSound` | loam_velodyne/LaserOdometry.cpp:392-446 | the edge loop over n sharp points pushes at most n entries, each one of those sharp points with a non-zero weighted distance; from iteration 5 that distance is below 0.5 |
| `Odometry.EdgeSelectionSources` | loam_velodyne/LaserOdometry.cpp:392-446 | each pushed edge entry comes from its own sharp point: the witnessed point indices are strictly increasing, so no point pushes twice; each such point has a second index (392), is the entry's point, and its weighted distance lies in (0.1·abs(d), abs(d)] |
| `Odometry.KeptEdgeEntry` | loam_velodyne/LaserOdometry.cpp:432-445 | a kept edge entry holds its point and a weighted distance in (0.1·abs(d), abs(d)], below 0.5 from iteration 5 |
| `Odometry.PlaneSelectionSound` | loam_velodyne/LaserOdometry.cpp:505-546 | the plane loop over n flat points pushes at most n entries, each one of those flat points with a non-zero weighted distance |
| `Odometry.PlaneSelectionSources` | loam_velodyne/LaserOdometry.cpp:505-546 | each pushed plane entry comes from its own flat point, in strictly increasing order, so no point pushes twice; each such point has a second and a third index (505). Where its query range is non-negative, which the square root at 534 guarantees, the weighted distance lies in (0.1·abs(d), abs(d)], and from iteration 5 it is below half the range |
| `Odometry.KeptPlaneEntry` | loam_velodyne/LaserOdometry.cpp:532-545 | a kept plane entry holds its point; for a non-negative range its weighted distance lies in (0.1·abs(d), abs(d)] and, from iteration 5, below half the range |
| `Odometry.SkippedIterationsKeepPose` | loam_velodyne/LaserOdometry.cpp:549-552 | iterations that all skip leave the transform unchanged |
| `Odometry.FewEntriesSkip` | loam_velodyne/LaserOdometry.cpp:549-552 | an iteration with fewer than 10 entries makes no update and cannot end the loop |
| `Odometry.ProjectionOnEveryUpdate` | loam_velodyne/LaserOdometry.cpp:682-712 | every update is the solution, projected by iteration 0's matP exactly when iteration 0 reached the solve and found eigenvalue 5 below 10 |
| `Odometry.IndicesSearchedEveryFifth` | loam_velodyne/LaserOdometry.cpp:348-503 | every fifth iteration each point gets its searched correspondence; in the others the indices are the previous iteration's |
| `Odometry.MatchCorner` | loam_velodyne/LaserOdometry.cpp:348-446 | one pass of the edge loop writes point i's indices (searched when iter % 5 == 0) and appends its entry |
| `Odometry.MatchCorners` | loam_velodyne/LaserOdometry.cpp:345-447 | the edge loop leaves the searched or reused indices and appends the edge selection |
| `Odometry.MatchSurface` | loam_velodyne/LaserOdometry.cpp:452-546 | one pass of the plane loop writes point i's indices and appends its entry |
| `Odometry.MatchSurfaces` | loam_velodyne/LaserOdometry.cpp:449-547 | the plane loop leaves the searched or reused indices and appends the plane selection |
| `Odometry.Collect` | loam_velodyne/LaserOdometry.cpp:341-547 | the cleared entry clouds end up as the edge selection followed by the plane selection |
| `Odometry.SolveStep` | loam_velodyne/LaserOdometry.cpp:549-727 | fewer than 10 entries skip. Otherwise iteration 0 decides degeneracy from the eigenvalues, a degenerate solution is projected, and the transform is updated |
| `Odometry.Iterate` | loam_velodyne/LaserOdometry.cpp:341-741 | one iteration extends the recorded trace, and stop holds exactly when it converged |
| `Odometry.LaserOdometry.constructor` | loam_velodyne/LaserOdometry.cpp:53-80 | nothing received, nothing initialised, all clouds empty, zero poses |
| `Odometry.LaserOdometry.HasNewData` | loam_velodyne/LaserOdometry.cpp:274-283 | when ready, all six stamps are equal |
| `Odometry.LaserOdometry.FreshAndEqualIsReady` | loam_velodyne/LaserOdometry.cpp:274-283 | six fresh streams whose stamps all equal the less flat stamp are ready |
| `Odometry.LaserOdometry.Reset` | loam_velodyne/LaserOdometry.cpp:262-270 | all six freshness flags are false and nothing else changes |
| `Odometry.LaserOdometry.TransformToEnd` | loam_velodyne/LaserOdometry.cpp:101-138 | returns the point count and rewrites each point in place as its deskewed version (intensity = ring) |
| `Odometry.LaserOdometry.GenerateRegisteredCloud` | loam_velodyne/LaserOdometry.cpp:796-807 | returns true exactly when ioRatio < 2 or frameCount % ioRatio == 1, and then deskews the full cloud; otherwise leaves it untouched |
| `Odometry.LaserOdometry.OptimizeStep` | loam_velodyne/LaserOdometry.cpp:341-741 | one iteration on the object's fields keeps the loop state and reports convergence |
| `Odometry.LaserOdometry.Optimize` | loam_velodyne/LaserOdometry.cpp:340-745 | at most maxIterations iterations, each recorded, stopping at the first that converges or when the budget is spent. The transform is the replay of the updates and isDegenerate is iteration 0's decision |
| `Odometry.LaserOdometry.Bootstrap` | loam_velodyne/LaserOdometry.cpp:299-311 | less sharp and less flat buffers swap into the reference slots, the sum is seeded from the imu start angles, systemInited becomes true |
| `Odometry.LaserOdometry.ResizeIndices` | loam_velodyne/LaserOdometry.cpp:334-338 | the five index vectors are resized to the current sharp and flat counts |
| `Odometry.LaserOdometry.OptimizeIfLargeEnough` | loam_velodyne/LaserOdometry.cpp:325-745 | the loop runs only with more than 10 reference corners and 100 reference surfaces; otherwise the transform is unchanged |
| `Odometry.LaserOdometry.Estimate` | loam_velodyne/LaserOdometry.cpp:313-745 | frameCount grows by 1, the transform is shifted by the imu velocity and then optimised |
| `Odometry.LaserOdometry.Handover` | loam_velodyne/LaserOdometry.cpp:755-783 | the cumulative pose is composed. The less sharp and less flat clouds are deskewed to the end and swapped with the reference clouds |
| `Odometry.LaserOdometry.Cycle` | loam_velodyne/LaserOdometry.cpp:313-793 | a non-bootstrap cycle: frame count + 1, optimisation as recorded, deskewed current clouds become the new references |
| `Odometry.LaserOdometry.Start` | loam_velodyne/LaserOdometry.cpp:290-311 | the first ready cycle clears all six flags, swaps the less sharp and less flat buffers into the reference slots, seeds the sum from the imu start angles and sets systemInited |
| `Odometry.LaserOdometry.Run` | loam_velodyne/LaserOdometry.cpp:290-794 | a later ready cycle clears all six flags, adds 1 to frameCount, records the optimisation, composes the sum and swaps in the deskewed references |
| `Odometry.LaserOdometry.Process` | loam_velodyne/LaserOdometry.cpp:287-794 | Not ready: returns false and changes nothing. Ready: all six flags are false afterwards. The first ready cycle swaps the buffers in, sets systemInited, returns false and keeps frameCount, the transform, the index vectors and the entry clouds. Every later ready cycle returns true with frameCount + 1, the recorded optimisation and the swapped, deskewed references |

## Left out

- Rotations: `rotateZXY` and `rotateYXZ` are defined in `math_utils.h`, which is not part of this model. They are given functions (`Rotations`). The diagnostic angle test at lines 124-126 only logs.
- Pose composition: `accumulateRotation` (206-240), `pluginIMURotation` (142-202) and the translation composition (753-777) are trigonometry. They are one given function, `Externals.compose`.
- Residual geometry: the point-to-line and point-to-plane formulas (396-430, 505-530) are given functions of the iteration, the point index and the reference points. The unused projected point `pointProj` is left out.
- The Jacobian and normal equations (555-678), the dead disturbance-model branch (636-664), the QR solve (680), the eigen solver (687-689) and `inverse()` (705) are left out. The solution and the eigen-decomposition are given functions of the transform and the entries, and the eigenvalues are not assumed to be sorted.
- Solver.ZeroWeakRows: the model states what the mask loop does to the rows of matV2 for any eigenvalue order. It does not claim that weak eigen-directions are removed. `SelfAdjointEigenSolver` returns ascending eigenvalues and eigenvectors as the columns of matV, while the loop zeroes rows and tests from the largest eigenvalue down. So it masks only when the largest eigenvalue is below 10, and then it masks all of matV2 (`AscendingMaskAllOrNothing`, `WeakSmallestEigenvalueNotMasked`).
- Residuals.EarlyIterationsKeepNonZero: distances are finite reals. A degenerate reference pair (`l12 == 0`, 413-424) or a collinear triple (`ps == 0`, 518-524) gives a NaN distance in the code. Before iteration 5 its weight is 1 and `NaN != 0` holds, so the code keeps the entry, counts it toward the 10-entry test and feeds it to the solve. The model has no such entry.
- The k-d tree search (350, 453) and `calcSquaredDiff` are a `Query` per iteration and point. The query point `pointSel` is never assigned, because the `transformToStart` calls (346, 450) are commented out, so the query is an input and nothing is assumed about it.
- TreesAnswer: the model requires that the k-d tree answers with an index into the current reference cloud. In the code the tree is set once in the bootstrap cycle (303-304) and the rebuild is commented out (789-790), so that assumption is not guaranteed by the code. It also states that the query range is non-negative, as the square root at line 534 makes it.
- `removeNaNFromPointCloud` (330, 349): coordinates are reals without NaN, so it is the identity here.
- Points.Ring: the edge forward break (359) casts the intensity with `size_t` and the others with `int`. Both are modelled as truncation, which agrees for the non-negative intensities the scan registration writes.
- Solver.ApplyUpdate: floats are reals, so a finite pose plus a finite step cannot overflow to infinity. Only a non-finite solution component triggers the reset.
- Solver.Project: a non-finite solution is modelled as non-finite in every component after the projection.
- Float rounding (the `1.8f` literal, float sums) is not modelled.
- The copy of the deskewed full-resolution cloud into the output argument of generateRegisteredCloud is commented out (801), so the model has no output cloud. It deskews the engine's own buffer only.
- Logging (`printf` at 738, 744 and 748-751), the empty `spin` (243-258) and all of `common.h` (file output of poses) are left out.

## Findings

| source | as written | input that shows it | evidently intended | confidence | as-written member | corrected member |
|---|---|---|---|---|---|---|
| loam_velodyne/LaserOdometry.cpp:358 | the forward scans (358 for edges, 460 for planes) run `j` up to the number of current sharp or flat points and index the reference cloud with it | eleven reference corners on one ring (more than the 10 that line 325 demands), nearest index 10, twelve current sharp points: position 11 of the reference cloud is read | the scan never reads past the end of the reference cloud | high that the read is out of bounds; not executed | `Correspondence.ForwardScanOverrun` | `Correspondence.EdgeSearch` |

`Correspondence.OverrunExactly` states exactly when the as-written loop overruns. The corrected scans (`EdgeSearch`, `PlaneForward`) also stop at the end of the reference cloud. Otherwise they keep the as-written bound. `Correspondence.CorrectedScanAgrees` proves that they visit the same positions wherever the as-written loop stays in bounds.
