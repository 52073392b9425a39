/** Feature points, their packed intensity field, poses and the per-point
    deskewing of LaserOdometry::transformToStart / transformToEnd. */
module Points {
  import opened Numerics

  datatype Vec3 = Vec3(x: real, y: real, z: real)

  /** A pcl::PointXYZI.  The intensity packs the scan ring (integer part) and
      the relative capture time within the sweep (fractional part). */
  datatype Point = Point(x: real, y: real, z: real, intensity: real)

  /** Pose parameters: Euler angles in radians and a translation. */
  datatype Pose = Pose(rx: real, ry: real, rz: real, tx: real, ty: real, tz: real)

  const ZeroPose := Pose(0.0, 0.0, 0.0, 0.0, 0.0, 0.0)

  /** The auxiliary motion record received with the imu transform. */
  datatype ImuState = ImuState(rollStart: real, pitchStart: real, yawStart: real,
                               rollEnd: real, pitchEnd: real, yawEnd: real,
                               shiftFromStart: Vec3, veloFromStart: Vec3)

  const NoImuMotion := ImuState(0.0, 0.0, 0.0, 0.0, 0.0, 0.0, Vec3(0.0, 0.0, 0.0), Vec3(0.0, 0.0, 0.0))

  /** rotateZXY(p, z, x, y) and rotateYXZ(p, y, x, z) of math_utils.h, which is
      not part of this model; the engine only needs them as given functions. */
  datatype Rotations = Rotations(zxy: (Vec3, real, real, real) -> Vec3,
                                 yxz: (Vec3, real, real, real) -> Vec3)

  /** Rotations that leave a vector alone when every angle is zero. */
  ghost predicate IdentityAtZero(rot: Rotations)
  {
    forall v: Vec3 :: rot.zxy(v, 0.0, 0.0, 0.0) == v && rot.yxz(v, 0.0, 0.0, 0.0) == v
  }

  /** The scan ring of a point: `int(intensity)`. */
  function Ring(p: Point): int
  {
    Trunc(p.intensity)
  }

  /** The relative time `s = 10 * (intensity - int(intensity))`. */
  function RelTime(p: Point): real
  {
    10.0 * Frac(p.intensity)
  }

  /** The intensity a scan registration writes for ring `ring` at relative time `t`. */
  function Encode(ring: nat, t: real): real
  {
    ring as real + t / 10.0
  }

  /** The packed intensity decodes to its ring and time, for every ring and
      every time in [0, 10). */
  lemma {:induction false} RingTimeRoundTrip(ring: nat, t: real)
    requires 0.0 <= t < 10.0
    ensures Ring(Point(0.0, 0.0, 0.0, Encode(ring, t))) == ring
    ensures RelTime(Point(0.0, 0.0, 0.0, Encode(ring, t))) == t
  {
    var v := Encode(ring, t);
    assert 0.0 <= t / 10.0 < 1.0;
    assert v.Floor == ring;
  }

  /** A non-negative intensity is exactly its ring plus a tenth of its time. */
  lemma IntensityDecodes(p: Point)
    requires p.intensity >= 0.0
    ensures Ring(p) >= 0 && 0.0 <= RelTime(p) < 10.0
    ensures p.intensity == Encode(Ring(p), RelTime(p))
  {
  }

  function Sub(p: Point, s: real, pose: Pose): Vec3
  {
    Vec3(p.x - s * pose.tx, p.y - s * pose.ty, p.z - s * pose.tz)
  }

  function AsPoint(v: Vec3, intensity: real): Point
  {
    Point(v.x, v.y, v.z, intensity)
  }

  /** transformToStart: move a point to the sweep start by the fraction `s` of
      the current motion estimate. */
  function ToStart(p: Point, pose: Pose, rot: Rotations): (r: Point)
    ensures r.intensity == p.intensity
  {
    var s := RelTime(p);
    var v := rot.zxy(Sub(p, s, pose), -s * pose.rz, -s * pose.rx, -s * pose.ry);
    AsPoint(v, p.intensity)
  }

  /** One iteration of the loop of transformToEnd: undo the fraction of the
      motion, apply the full motion, then the imu correction; the intensity keeps
      only the ring. */
  function ToEnd(p: Point, pose: Pose, imu: ImuState, rot: Rotations): (r: Point)
    ensures r.intensity == Ring(p) as real
  {
    var s := RelTime(p);
    var v1 := rot.zxy(Sub(p, s, pose), -s * pose.rz, -s * pose.rx, -s * pose.ry);
    var v2 := rot.yxz(v1, pose.ry, pose.rx, pose.rz);
    var v3 := Vec3(v2.x + pose.tx - imu.shiftFromStart.x,
                   v2.y + pose.ty - imu.shiftFromStart.y,
                   v2.z + pose.tz - imu.shiftFromStart.z);
    var v4 := rot.zxy(v3, imu.rollStart, imu.pitchStart, imu.yawStart);
    var v5 := rot.yxz(v4, -imu.yawEnd, -imu.pitchEnd, -imu.rollEnd);
    AsPoint(v5, Ring(p) as real)
  }

  /** A point deskewed to the sweep end keeps its ring and has relative time 0. */
  lemma {:induction false} ToEndKeepsRing(p: Point, pose: Pose, imu: ImuState, rot: Rotations)
    ensures Ring(ToEnd(p, pose, imu, rot)) == Ring(p)
    ensures RelTime(ToEnd(p, pose, imu, rot)) == 0.0
  {
    TruncOfInteger(Ring(p));
  }

  /** With no motion estimate, transformToStart is the identity. */
  lemma ToStartAtRest(p: Point, rot: Rotations)
    requires IdentityAtZero(rot)
    ensures ToStart(p, ZeroPose, rot) == p
  {
    var s := RelTime(p);
    var v := Vec3(p.x, p.y, p.z);
    assert Sub(p, s, ZeroPose) == v;
    assert -s * ZeroPose.rz == 0.0 && -s * ZeroPose.rx == 0.0 && -s * ZeroPose.ry == 0.0;
    assert rot.zxy(v, 0.0, 0.0, 0.0) == v;
  }

  /** With no motion and no imu motion, deskewing to the start and then to the
      end returns the point's position, and its ring as intensity. */
  lemma ToStartThenEndAtRest(p: Point, rot: Rotations)
    requires IdentityAtZero(rot)
    ensures ToEnd(ToStart(p, ZeroPose, rot), ZeroPose, NoImuMotion, rot)
         == Point(p.x, p.y, p.z, Ring(p) as real)
  {
    ToStartAtRest(p, rot);
    var q := ToStart(p, ZeroPose, rot);
    assert Sub(q, RelTime(q), ZeroPose) == Vec3(p.x, p.y, p.z);
  }

  /** The cloud transformToEnd leaves behind. */
  function CloudToEnd(cloud: seq<Point>, pose: Pose, imu: ImuState, rot: Rotations): (r: seq<Point>)
    ensures |r| == |cloud|
    ensures forall i | 0 <= i < |cloud| :: r[i] == ToEnd(cloud[i], pose, imu, rot)
  {
    seq(|cloud|, i requires 0 <= i < |cloud| => ToEnd(cloud[i], pose, imu, rot))
  }

  /** After deskewing, every point's intensity is its ring, the same ring as
      before, and its relative time is 0. */
  lemma CloudToEndRingsOnly(cloud: seq<Point>, pose: Pose, imu: ImuState, rot: Rotations)
    ensures forall i | 0 <= i < |cloud| ::
      var q := CloudToEnd(cloud, pose, imu, rot)[i];
      q.intensity == Ring(q) as real && Ring(q) == Ring(cloud[i]) && RelTime(q) == 0.0
  {
    forall i | 0 <= i < |cloud|
      ensures var q := CloudToEnd(cloud, pose, imu, rot)[i];
              q.intensity == Ring(q) as real && Ring(q) == Ring(cloud[i]) && RelTime(q) == 0.0
    {
      ToEndKeepsRing(cloud[i], pose, imu, rot);
    }
  }
}
